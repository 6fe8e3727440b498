/**
 * `changeDoInBackgroundOnProgressUpdate`, inside the migrated background
 * method: every reference expression whose text is `publishProgress` becomes
 * `publishProgress.onNext`, so progress is emitted on the observer passed in
 * as the new last parameter.
 */
module ProgressObserver {
  import opened Psi
  import opened PsiEdits
  import opened RefactorText

  const ProgressRef := Ref(PublishProgress)
  const ProgressOnNext := Select(Ref(PublishProgress), OnNext)

  function SubstExpr(e: Expr): Expr
    decreases e, 1
  {
    match e
    case Ref(n) => if n == PublishProgress then ProgressOnNext else e
    case Select(q, m) => Select(SubstExpr(q), m)
    case Call(f, args) => Call(SubstExpr(f), SubstExprs(args))
    case New(t, parts) => New(t, SubstExprs(parts))
    case Lit(_) => e
  }

  function SubstExprs(es: seq<Expr>): (r: seq<Expr>)
    ensures |r| == |es|
    decreases es, 0
  {
    if es == [] then [] else [SubstExpr(es[0])] + SubstExprs(es[1..])
  }

  function SubstStmt(s: Stmt): Stmt {
    match s
    case Source(id, exprs, attached) => Source(id, SubstExprs(exprs), attached)
    case Generated(_, _) => s
  }

  function SubstBody(body: seq<Stmt>): (r: seq<Stmt>)
    ensures |r| == |body| && forall i :: 0 <= i < |body| ==> r[i] == SubstStmt(body[i])
  {
    seq(|body|, i requires 0 <= i < |body| => SubstStmt(body[i]))
  }

  /** The inverse rewrite: `publishProgress.onNext` back to `publishProgress`. */
  function RestoreExpr(e: Expr): Expr
    decreases e, 1
  {
    match e
    case Ref(_) => e
    case Select(q, m) => if q == ProgressRef && m == OnNext then ProgressRef else Select(RestoreExpr(q), m)
    case Call(f, args) => Call(RestoreExpr(f), RestoreExprs(args))
    case New(t, parts) => New(t, RestoreExprs(parts))
    case Lit(_) => e
  }

  function RestoreExprs(es: seq<Expr>): seq<Expr>
    decreases es, 0
  {
    if es == [] then [] else [RestoreExpr(es[0])] + RestoreExprs(es[1..])
  }

  function RestoreStmt(s: Stmt): Stmt {
    match s
    case Source(id, exprs, attached) => Source(id, RestoreExprs(exprs), attached)
    case Generated(_, _) => s
  }

  function RestoreBody(body: seq<Stmt>): (r: seq<Stmt>)
    ensures |r| == |body| && forall i :: 0 <= i < |body| ==> r[i] == RestoreStmt(body[i])
  {
    seq(|body|, i requires 0 <= i < |body| => RestoreStmt(body[i]))
  }

  /** A rewritten expression is never the bare reference itself. */
  lemma SubstNeverBare(e: Expr)
    ensures SubstExpr(e) != ProgressRef
  {
  }

  /** Undoing the rewrite gives back the original expression: no information is lost. */
  lemma {:induction false} RestoreSubstExpr(e: Expr)
    ensures RestoreExpr(SubstExpr(e)) == e
    decreases e, 1
  {
    match e
    case Ref(_) =>
    case Select(q, m) =>
      SubstNeverBare(q);
      RestoreSubstExpr(q);
    case Call(f, args) =>
      RestoreSubstExpr(f);
      RestoreSubstExprs(args);
    case New(t, parts) =>
      RestoreSubstExprs(parts);
    case Lit(_) =>
  }

  lemma {:induction false} RestoreSubstExprs(es: seq<Expr>)
    ensures RestoreExprs(SubstExprs(es)) == es
    decreases es, 0
  {
    if es != [] {
      RestoreSubstExpr(es[0]);
      RestoreSubstExprs(es[1..]);
      assert SubstExprs(es)[0] == SubstExpr(es[0]);
      assert SubstExprs(es)[1..] == SubstExprs(es[1..]);
    }
  }

  lemma RestoreSubstBody(body: seq<Stmt>)
    ensures RestoreBody(SubstBody(body)) == body
  {
    forall i | 0 <= i < |body| ensures RestoreStmt(SubstStmt(body[i])) == body[i] {
      if body[i].Source? {
        RestoreSubstExprs(body[i].exprs);
      }
    }
  }

  /** The expression refers to `publishProgress` unqualified somewhere. */
  predicate Mentions(e: Expr)
    decreases e, 1
  {
    match e
    case Ref(n) => n == PublishProgress
    case Select(q, _) => Mentions(q)
    case Call(f, args) => Mentions(f) || MentionsAny(args)
    case New(_, parts) => MentionsAny(parts)
    case Lit(_) => false
  }

  predicate MentionsAny(es: seq<Expr>)
    decreases es, 0
  {
    es != [] && (Mentions(es[0]) || MentionsAny(es[1..]))
  }

  /** An expression that never names `publishProgress` is left as it was. */
  lemma {:induction false} SubstUnmentioned(e: Expr)
    requires !Mentions(e)
    ensures SubstExpr(e) == e
    decreases e, 1
  {
    match e
    case Ref(_) =>
    case Select(q, _) => SubstUnmentioned(q);
    case Call(f, args) => SubstUnmentioned(f); SubstUnmentionedAll(args);
    case New(_, parts) => SubstUnmentionedAll(parts);
    case Lit(_) =>
  }

  lemma {:induction false} SubstUnmentionedAll(es: seq<Expr>)
    requires !MentionsAny(es)
    ensures SubstExprs(es) == es
    decreases es, 0
  {
    if es != [] {
      SubstUnmentioned(es[0]);
      SubstUnmentionedAll(es[1..]);
    }
  }

  /** Every unqualified `publishProgress` is the qualifier of `.onNext`. */
  predicate Observed(e: Expr)
    decreases e, 1
  {
    match e
    case Ref(n) => n != PublishProgress
    case Select(q, m) => (q == ProgressRef && m == OnNext) || Observed(q)
    case Call(f, args) => Observed(f) && AllObserved(args)
    case New(_, parts) => AllObserved(parts)
    case Lit(_) => true
  }

  predicate AllObserved(es: seq<Expr>)
    decreases es, 0
  {
    es == [] || (Observed(es[0]) && AllObserved(es[1..]))
  }

  /** After the rewrite no call goes to `publishProgress` itself, only to its `onNext`. */
  lemma {:induction false} SubstObserved(e: Expr)
    ensures Observed(SubstExpr(e))
    decreases e, 1
  {
    match e
    case Ref(_) =>
    case Select(q, _) => SubstObserved(q);
    case Call(f, args) => SubstObserved(f); SubstAllObserved(args);
    case New(_, parts) => SubstAllObserved(parts);
    case Lit(_) =>
  }

  lemma {:induction false} SubstAllObserved(es: seq<Expr>)
    ensures AllObserved(SubstExprs(es))
    decreases es, 0
  {
    if es != [] {
      SubstObserved(es[0]);
      SubstAllObserved(es[1..]);
      assert SubstExprs(es)[0] == SubstExpr(es[0]);
      assert SubstExprs(es)[1..] == SubstExprs(es[1..]);
    }
  }

  /**
   * In a rewritten body every source statement calls `publishProgress` only
   * through `.onNext`, and a statement that never names `publishProgress`
   * is left as it was.
   */
  lemma SubstBodyObserved(body: seq<Stmt>)
    ensures forall i :: 0 <= i < |body| && body[i].Source? ==> AllObserved(SubstBody(body)[i].exprs)
    ensures forall i :: 0 <= i < |body| && (body[i].Generated? || !MentionsAny(body[i].exprs)) ==>
      SubstBody(body)[i] == body[i]
  {
    forall i | 0 <= i < |body| && body[i].Source?
      ensures AllObserved(SubstBody(body)[i].exprs)
    {
      SubstAllObserved(body[i].exprs);
    }
    forall i | 0 <= i < |body| && body[i].Source? && !MentionsAny(body[i].exprs)
      ensures SubstBody(body)[i] == body[i]
    {
      SubstUnmentionedAll(body[i].exprs);
    }
  }

  /** The rewrite keeps every statement in place: the same statements, by id, in the same order. */
  lemma SubstBodyKeepsIds(body: seq<Stmt>, x: StmtId)
    ensures ContainsId(SubstBody(body), x) <==> ContainsId(body, x)
  {
    if ContainsId(body, x) {
      var i :| 0 <= i < |body| && HasId(body[i], x);
      assert HasId(SubstBody(body)[i], x);
    }
  }
}
