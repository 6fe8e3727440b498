/**
 * The part of IntelliJ's Java PSI tree the rewrite engine reads and edits.
 *
 * Classes, methods, fields, statements and expressions are values. The two
 * things the engine changes in place are objects: a class whose member list
 * is edited (`ClassNode`) and a Java file whose import list is edited
 * (`SourceFile`). A statement that comes from the source carries an `id`, the
 * stand-in for a PSI pointer: it stays valid while statements around it are
 * inserted or removed. Statements produced by the rewrite are kept as text.
 */
module Psi {
  import opened Wrappers

  type StmtId = nat
  type FileId = nat

  datatype Modifier = Public | Protected | Private | Static | Final | Abstract | Synchronized

  /** The three access modifiers; a declaration holds at most one of them. */
  predicate IsAccess(m: Modifier) { m == Public || m == Protected || m == Private }

  datatype Param = Param(typ: string, name: string)

  /**
   * Expressions. `Ref` is an unqualified reference expression (its text is its
   * name) and `Select` a qualified one, `q.name`, whose text therefore holds a
   * dot. A new-expression keeps the text the IDE reports for it and the
   * expressions written inside it (arguments, anonymous class body).
   */
  datatype Expr =
    | Ref(name: string)
    | Select(qualifier: Expr, member: string)
    | Call(callee: Expr, args: seq<Expr>)
    | New(text: string, parts: seq<Expr>)
    | Lit(literal: string)

  /**
   * A statement from the source with its expressions, or one generated as
   * text. `attached` holds the statements the rewrite has added inside it,
   * after its last child: they are part of the statement, so they go
   * wherever it goes and disappear when it is replaced or deleted.
   */
  datatype Stmt =
    | Source(id: StmtId, exprs: seq<Expr>, attached: seq<Stmt>)
    | Generated(text: string, attached: seq<Stmt>)

  datatype Method = Method(
    name: string,
    modifiers: set<Modifier>,
    annotations: seq<string>,
    params: seq<Param>,
    body: seq<Stmt>)

  datatype Field = Field(modifiers: set<Modifier>, typ: string, name: string, init: string)

  /** A member of a class body: a field, a method or a nested class (by name). */
  datatype Member =
    | FieldMember(field: Field)
    | MethodMember(decl: Method)
    | ClassMember(className: string)

  /**
   * A class declaration: its own members in source order, and what it
   * inherits. `extendsList` is `None` where the IDE has no extends list.
   */
  datatype ClassDecl = ClassDecl(
    name: string,
    file: FileId,
    extendsList: Option<seq<string>>,
    members: seq<Member>,
    inheritedMethods: seq<Method>,
    inheritedFields: seq<Field>,
    textOffset: int)
  {
    /** `getMethods()`: the class's own methods. */
    function OwnMethods(): seq<Method> { MethodsOf(members) }

    /** `getAllMethods()`: own methods, then inherited ones. */
    function AllMethods(): seq<Method> { MethodsOf(members) + inheritedMethods }

    /** `getFields()`: the class's own fields. */
    function OwnFields(): seq<Field> { FieldsOf(members) }

    /** `getAllFields()`: own fields, then inherited ones. */
    function AllFields(): seq<Field> { FieldsOf(members) + inheritedFields }
  }

  datatype Import = Import(qualifiedName: string, onDemand: bool)

  /** What the reference element to the task class sits in: its parent. */
  datatype ParentKind =
    | TypeElementParent
    | NewExpressionParent
    | ReferenceExpressionParent
    | OtherParent

  /** What the reference element's parent sits in: its grandparent. */
  datatype GrandparentKind =
    | LocalVariableGrandparent
    | FieldGrandparent
    | OtherGrandparent

  /** A method call: the statement it is the expression of, and its argument texts. */
  datatype CallSite = CallSite(stmt: StmtId, args: seq<string>)

  /**
   * One result of `ReferencesSearch` on the task class, with what the engine
   * reads around it: the file it is in, the kinds of its parent and
   * grandparent and the grandparent's text, the statement that holds it, the
   * call when its great-grandparent is a method call, and, when its
   * grandparent is a local variable, the calls the references to that
   * variable sit in.
   */
  datatype Reference = Reference(
    file: FileId,
    parent: ParentKind,
    grandparent: GrandparentKind,
    grandparentText: string,
    stmt: StmtId,
    call: Option<CallSite>,
    variableUses: seq<CallSite>)

  /** The methods among `ms`, in order. */
  function MethodsOf(ms: seq<Member>): (r: seq<Method>)
    ensures |r| <= |ms|
    ensures forall m :: m in r <==> MethodMember(m) in ms
  {
    if ms == [] then []
    else (if ms[0].MethodMember? then [ms[0].decl] else []) + MethodsOf(ms[1..])
  }

  /** The fields among `ms`, in order. */
  function FieldsOf(ms: seq<Member>): (r: seq<Field>)
    ensures |r| <= |ms|
    ensures forall f :: f in r <==> FieldMember(f) in ms
  {
    if ms == [] then []
    else (if ms[0].FieldMember? then [ms[0].field] else []) + FieldsOf(ms[1..])
  }

  lemma {:induction false} MethodsOfAppend(a: seq<Member>, b: seq<Member>)
    ensures MethodsOf(a + b) == MethodsOf(a) + MethodsOf(b)
  {
    if a != [] {
      assert (a + b)[1..] == a[1..] + b;
      MethodsOfAppend(a[1..], b);
    } else {
      assert a + b == b;
    }
  }

  lemma {:induction false} FieldsOfAppend(a: seq<Member>, b: seq<Member>)
    ensures FieldsOf(a + b) == FieldsOf(a) + FieldsOf(b)
  {
    if a != [] {
      assert (a + b)[1..] == a[1..] + b;
      FieldsOfAppend(a[1..], b);
    } else {
      assert a + b == b;
    }
  }

  /**
   * `anyMatch(m -> m.getName().equals(name))`, written as the stream walks
   * the array; its contract is the existential it decides.
   */
  function AnyMethodNamed(ms: seq<Method>, name: string): (r: bool)
    ensures r <==> exists i :: 0 <= i < |ms| && ms[i].name == name
  {
    if ms == [] then false
    else ms[0].name == name || AnyMethodNamed(ms[1..], name)
  }

  /** A Java file; the rewrite edits its import list in place. */
  class SourceFile {
    const id: FileId
    /** The file is a `PsiJavaFile`. */
    const isJava: bool
    /** `getImportList()` is not null. */
    const hasImportList: bool
    var imports: seq<Import>

    constructor (id: FileId, isJava: bool, hasImportList: bool, imports: seq<Import>)
      ensures this.id == id && this.isJava == isJava && this.hasImportList == hasImportList
      ensures this.imports == imports
    {
      this.id := id;
      this.isJava := isJava;
      this.hasImportList := hasImportList;
      this.imports := imports;
    }
  }

  /** A class whose member list the rewrite edits in place. */
  class ClassNode {
    const name: string
    const file: SourceFile
    const extendsList: Option<seq<string>>
    const inheritedMethods: seq<Method>
    const inheritedFields: seq<Field>
    const textOffset: int
    var members: seq<Member>

    /** The class as it stands now. */
    function Decl(): (d: ClassDecl)
      reads this
      ensures d.name == name && d.members == members && d.extendsList == extendsList
    {
      ClassDecl(name, file.id, extendsList, members, inheritedMethods, inheritedFields, textOffset)
    }

    constructor (name: string, file: SourceFile, extendsList: Option<seq<string>>,
                 members: seq<Member>, inheritedMethods: seq<Method>,
                 inheritedFields: seq<Field>, textOffset: int)
      ensures this.name == name && this.file == file && this.extendsList == extendsList
      ensures this.members == members && this.inheritedMethods == inheritedMethods
      ensures this.inheritedFields == inheritedFields && this.textOffset == textOffset
    {
      this.name := name;
      this.file := file;
      this.extendsList := extendsList;
      this.members := members;
      this.inheritedMethods := inheritedMethods;
      this.inheritedFields := inheritedFields;
      this.textOffset := textOffset;
    }
  }
}
