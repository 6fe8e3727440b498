/**
 * The safety analysis that decides whether an AsyncTask class may be
 * rewritten (`AnalyseAsyncTask.isInvalidToRefactor`). The references the IDE
 * finds to the class are an input.
 */
module AnalyseAsyncTask {
  import opened Strings
  import opened Psi

  const IsCancelled := "isCancelled"
  const GetStatus := "getStatus"

  /** A method named like its class is a constructor; one with parameters disqualifies. */
  predicate IsParameterisedConstructor(c: ClassDecl, m: Method) {
    m.name == c.name && m.params != []
  }

  predicate HasParameterisedConstructor(c: ClassDecl) {
    exists i :: 0 <= i < |c.OwnMethods()| && IsParameterisedConstructor(c, c.OwnMethods()[i])
  }

  /**
   * The forbidden-call test looks at a reference whose parent is a
   * new-expression not held directly by a local variable, or a reference
   * expression.
   */
  predicate SuffixCheckApplies(r: Reference) {
    (r.parent == NewExpressionParent && r.grandparent != LocalVariableGrandparent)
    || r.parent == ReferenceExpressionParent
  }

  /** The grandparent's text ends in a call with no reactive counterpart. */
  predicate CallsForbidden(r: Reference) {
    EndsWith(r.grandparentText, IsCancelled) || EndsWith(r.grandparentText, GetStatus)
  }

  /** A reference that makes the class invalid to refactor. */
  predicate Disqualifies(c: ClassDecl, r: Reference) {
    r.file != c.file
    || r.grandparent == FieldGrandparent
    || (SuffixCheckApplies(r) && CallsForbidden(r))
  }

  /** The decision `isInvalidToRefactor` makes, stated as an existential. */
  predicate InvalidToRefactor(c: ClassDecl, refs: seq<Reference>) {
    HasParameterisedConstructor(c) || exists i :: 0 <= i < |refs| && Disqualifies(c, refs[i])
  }

  /**
   * `isInvalidToRefactor`: first the constructors, returning at the first
   * one with parameters; then the references, stopping at the first
   * disqualifying one. The flag is only written while it is false.
   */
  method IsInvalidToRefactor(c: ClassDecl, refs: seq<Reference>) returns (isInvalid: bool)
    ensures isInvalid == InvalidToRefactor(c, refs)
  {
    isInvalid := false;
    var methods := c.OwnMethods();
    var i := 0;
    while i < |methods|
      invariant 0 <= i <= |methods|
      invariant forall j :: 0 <= j < i ==> !IsParameterisedConstructor(c, methods[j])
    {
      if methods[i].name == c.name && methods[i].params != [] {
        return true;
      }
      i := i + 1;
    }
    var k := 0;
    while k < |refs|
      invariant 0 <= k <= |refs|
      invariant !isInvalid
      invariant forall j :: 0 <= j < k ==> !Disqualifies(c, refs[j])
    {
      var ref := refs[k];
      if ref.file != c.file || ref.grandparent == FieldGrandparent {
        isInvalid := true;
        break;
      }
      if (ref.parent == NewExpressionParent && ref.grandparent != LocalVariableGrandparent)
         || ref.parent == ReferenceExpressionParent
      {
        isInvalid := EndsWith(ref.grandparentText, IsCancelled) || EndsWith(ref.grandparentText, GetStatus);
        if isInvalid {
          break;
        }
      }
      k := k + 1;
    }
  }

  /** The answer depends on which references there are, not on their order or repetition. */
  lemma OrderIrrelevant(c: ClassDecl, refs: seq<Reference>, refs': seq<Reference>)
    requires forall r :: r in refs <==> r in refs'
    ensures InvalidToRefactor(c, refs) == InvalidToRefactor(c, refs')
  {
    if exists i :: 0 <= i < |refs| && Disqualifies(c, refs[i]) {
      var i :| 0 <= i < |refs| && Disqualifies(c, refs[i]);
      assert refs[i] in refs';
    }
    if exists i :: 0 <= i < |refs'| && Disqualifies(c, refs'[i]) {
      var i :| 0 <= i < |refs'| && Disqualifies(c, refs'[i]);
      assert refs'[i] in refs;
    }
  }

  /** A constructor with parameters decides alone, whatever the references. */
  lemma ParameterisedConstructorDecides(c: ClassDecl, m: Method, refs: seq<Reference>)
    requires MethodMember(m) in c.members && m.name == c.name && m.params != []
    ensures InvalidToRefactor(c, refs)
  {
    assert m in c.OwnMethods();
    var i :| 0 <= i < |c.OwnMethods()| && c.OwnMethods()[i] == m;
  }

  /** A constructor without parameters and no disqualifying reference leave the class valid. */
  lemma ParameterlessConstructorIsValid(c: ClassDecl, refs: seq<Reference>)
    requires forall m :: m in c.OwnMethods() && m.name == c.name ==> m.params == []
    requires forall r :: r in refs ==> !Disqualifies(c, r)
    ensures !InvalidToRefactor(c, refs)
  {
  }

  /** A use from another file, or one held by a field, makes the class invalid. */
  lemma CrossFileOrFieldUseInvalid(c: ClassDecl, refs: seq<Reference>, r: Reference)
    requires r in refs && (r.file != c.file || r.grandparent == FieldGrandparent)
    ensures InvalidToRefactor(c, refs)
  {
    var i :| 0 <= i < |refs| && refs[i] == r;
  }

  /** `new Task()` held directly by a local variable never reaches the suffix check. */
  lemma LocalVariableNewIsSafe(c: ClassDecl, r: Reference)
    requires r.parent == NewExpressionParent && r.grandparent == LocalVariableGrandparent
    requires r.file == c.file
    ensures !Disqualifies(c, r)
  {
  }

  /** Where the suffix check applies, the verdict on the reference is exactly the suffix test. */
  lemma SuffixDecides(c: ClassDecl, r: Reference)
    requires r.file == c.file && r.grandparent != FieldGrandparent && SuffixCheckApplies(r)
    ensures Disqualifies(c, r) <==> EndsWith(r.grandparentText, IsCancelled) || EndsWith(r.grandparentText, GetStatus)
  {
  }
}
