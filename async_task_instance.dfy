/**
 * `AsyncTaskInstance`: an immutable snapshot of a candidate class, taken when
 * it is built, with two hook flags. Every field is final, so the datatype's
 * fields stand for the getters.
 */
module AsyncTaskInstance {
  import opened Wrappers
  import opened Psi

  const OnProgressUpdate := "onProgressUpdate"
  const OnPreExecute := "onPreExecute"

  datatype AsyncTaskInstance = AsyncTaskInstance(
    classInstance: Option<ClassDecl>,
    onProgressUpdateExist: bool,
    onPreExecuteExist: bool,
    allMethods: seq<Method>,
    allFields: seq<Field>,
    textOffset: int)

  /** The private `onProgressUpdateExist`: false for no class, else some method is named `onProgressUpdate`. */
  function OnProgressUpdateExist(c: Option<ClassDecl>): (r: bool)
    ensures r <==> c.Some? && exists i :: 0 <= i < |c.value.AllMethods()| && c.value.AllMethods()[i].name == OnProgressUpdate
  {
    c.Some? && AnyMethodNamed(c.value.AllMethods(), OnProgressUpdate)
  }

  /**
   * The private `onPreExecuteExist`, as written: it tests for a method named
   * `onProgressUpdate` as well.
   */
  function OnPreExecuteExist(c: Option<ClassDecl>): bool {
    c.Some? && AnyMethodNamed(c.value.AllMethods(), OnProgressUpdate)
  }

  /** The constructor: the class, both flags, and snapshots of its methods, fields and text offset. */
  function Create(c: Option<ClassDecl>): (r: AsyncTaskInstance)
    ensures r.classInstance == c
    ensures c.None? ==> !r.onProgressUpdateExist && !r.onPreExecuteExist
                        && r.allMethods == [] && r.allFields == [] && r.textOffset == 0
    ensures c.Some? ==> r.allMethods == c.value.AllMethods() && r.allFields == c.value.AllFields()
                        && r.textOffset == c.value.textOffset
    ensures r.onProgressUpdateExist <==>
              c.Some? && exists m :: m in c.value.AllMethods() && m.name == OnProgressUpdate
  {
    AsyncTaskInstance(
      c,
      OnProgressUpdateExist(c),
      OnPreExecuteExist(c),
      if c.Some? then c.value.AllMethods() else [],
      if c.Some? then c.value.AllFields() else [],
      if c.Some? then c.value.textOffset else 0)
  }

  /** The pre-execute flag always equals the progress flag. */
  lemma PreExecuteFlagIsProgressFlag(c: Option<ClassDecl>)
    ensures Create(c).onPreExecuteExist == Create(c).onProgressUpdateExist
  {
  }

  /**
   * A task whose only hook is `onPreExecute` gets a false pre-execute flag:
   * the flag misses the very method it is named after.
   */
  lemma PreExecuteFlagMissesOnPreExecute()
    ensures var m := Method(OnPreExecute, {Protected}, ["Override"], [], []);
            var c := ClassDecl("Download", 0, Some(["AsyncTask"]), [MethodMember(m)], [], [], 0);
            m in c.AllMethods() && !Create(Some(c)).onPreExecuteExist
  {
    var m := Method(OnPreExecute, {Protected}, ["Override"], [], []);
    var c := ClassDecl("Download", 0, Some(["AsyncTask"]), [MethodMember(m)], [], [], 0);
    assert c.AllMethods() == [m] by {
      assert [MethodMember(m)][1..] == [];
    }
  }
}
