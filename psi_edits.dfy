/**
 * The tree edits the rewrite performs through PSI (`addBefore`, `addAfter`,
 * `replace`, `delete` on a statement; inserting and removing class members),
 * as functions from the old list to the new one.
 */
module PsiEdits {
  import opened Wrappers
  import opened Psi

  predicate HasId(s: Stmt, id: StmtId) {
    s.Source? && s.id == id
  }

  predicate ContainsId(body: seq<Stmt>, id: StmtId) {
    exists i :: 0 <= i < |body| && HasId(body[i], id)
  }

  /** No two source statements of `body` share an id. */
  predicate UniqueIds(body: seq<Stmt>) {
    forall i, j :: 0 <= i < j < |body| && body[i].Source? && body[j].Source? ==> body[i].id != body[j].id
  }

  /**
   * One edit around the statement `id`: it is preceded by `before`, kept when
   * `keep` holds (else removed), and followed by `after`. A body without the
   * statement is left as it is.
   */
  function Splice(body: seq<Stmt>, id: StmtId, before: seq<Stmt>, keep: bool, after: seq<Stmt>): seq<Stmt>
  {
    if body == [] then []
    else
      (if HasId(body[0], id) then before + (if keep then [body[0]] else []) + after else [body[0]])
      + Splice(body[1..], id, before, keep, after)
  }

  /** `addBefore(s, statement)` */
  function InsertBefore(body: seq<Stmt>, id: StmtId, s: Stmt): seq<Stmt> {
    Splice(body, id, [s], true, [])
  }

  /** `statement.replace(ss[0])` followed by `addAfter` of the rest. */
  function ReplaceWith(body: seq<Stmt>, id: StmtId, ss: seq<Stmt>): seq<Stmt> {
    Splice(body, id, [], false, ss)
  }

  /** `statement.delete()` */
  function Delete(body: seq<Stmt>, id: StmtId): seq<Stmt> {
    Splice(body, id, [], false, [])
  }

  lemma {:induction false} SpliceNoId(body: seq<Stmt>, id: StmtId, before: seq<Stmt>, keep: bool, after: seq<Stmt>)
    requires !ContainsId(body, id)
    ensures Splice(body, id, before, keep, after) == body
  {
    if body != [] {
      assert !HasId(body[0], id);
      assert !ContainsId(body[1..], id) by {
        forall i | 0 <= i < |body[1..]| ensures !HasId(body[1..][i], id) {
          assert body[1..][i] == body[i + 1];
        }
      }
      SpliceNoId(body[1..], id, before, keep, after);
    }
  }

  lemma {:induction false} SpliceAppend(a: seq<Stmt>, b: seq<Stmt>, id: StmtId, before: seq<Stmt>, keep: bool, after: seq<Stmt>)
    ensures Splice(a + b, id, before, keep, after) == Splice(a, id, before, keep, after) + Splice(b, id, before, keep, after)
  {
    if a == [] {
      assert a + b == b;
    } else {
      assert (a + b)[0] == a[0];
      assert (a + b)[1..] == a[1..] + b;
      SpliceAppend(a[1..], b, id, before, keep, after);
    }
  }

  /**
   * Where the statement sits once, the edit changes exactly that place:
   * everything before and after it is kept as it was.
   */
  lemma {:induction false} SpliceAt(p: seq<Stmt>, s: Stmt, q: seq<Stmt>, id: StmtId, before: seq<Stmt>, keep: bool, after: seq<Stmt>)
    requires HasId(s, id) && !ContainsId(p, id) && !ContainsId(q, id)
    ensures Splice(p + [s] + q, id, before, keep, after)
         == p + before + (if keep then [s] else []) + after + q
  {
    var mid := before + (if keep then [s] else []) + after;
    calc {
      Splice(p + [s] + q, id, before, keep, after);
      == { SpliceAppend(p + [s], q, id, before, keep, after); }
      Splice(p + [s], id, before, keep, after) + Splice(q, id, before, keep, after);
      == { SpliceAppend(p, [s], id, before, keep, after); }
      Splice(p, id, before, keep, after) + Splice([s], id, before, keep, after) + Splice(q, id, before, keep, after);
      == { SpliceNoId(p, id, before, keep, after); SpliceNoId(q, id, before, keep, after); SpliceOne(s, id, before, keep, after); }
      p + mid + q;
    }
  }

  lemma SpliceOne(s: Stmt, id: StmtId, before: seq<Stmt>, keep: bool, after: seq<Stmt>)
    requires HasId(s, id)
    ensures Splice([s], id, before, keep, after) == before + (if keep then [s] else []) + after
  {
    assert [s][1..] == [];
  }

  /** An edit of a non-empty body is the edit of its first statement followed by the edit of the rest. */
  lemma SpliceCons(body: seq<Stmt>, id: StmtId, before: seq<Stmt>, keep: bool, after: seq<Stmt>)
    requires body != []
    ensures Splice(body, id, before, keep, after) == Splice([body[0]], id, before, keep, after) + Splice(body[1..], id, before, keep, after)
  {
    assert [body[0]][1..] == [];
  }

  /** `SpliceTwice` for a single statement. */
  lemma SpliceTwiceOne(s: Stmt, id: StmtId, before: seq<Stmt>, after: seq<Stmt>)
    requires !ContainsId(before, id)
    ensures Splice(Splice([s], id, before, true, []), id, [], false, after) == Splice([s], id, before, false, after)
  {
    if HasId(s, id) {
      SpliceOne(s, id, before, true, []);
      SpliceOne(s, id, before, false, after);
      assert before + [s] + [] == before + [s];
      SpliceAppend(before, [s], id, [], false, after);
      SpliceNoId(before, id, [], false, after);
      SpliceOne(s, id, [], false, after);
    } else {
      assert [s][1..] == [];
    }
  }

  /**
   * `addBefore` of statements around the statement and then its `replace`:
   * the same as one edit that drops it in place.
   */
  lemma {:induction false} SpliceTwice(body: seq<Stmt>, id: StmtId, before: seq<Stmt>, after: seq<Stmt>)
    requires !ContainsId(before, id)
    ensures Splice(Splice(body, id, before, true, []), id, [], false, after) == Splice(body, id, before, false, after)
  {
    if body != [] {
      var head := Splice([body[0]], id, before, true, []);
      var rest := Splice(body[1..], id, before, true, []);
      calc {
        Splice(Splice(body, id, before, true, []), id, [], false, after);
        { SpliceCons(body, id, before, true, []); }
        Splice(head + rest, id, [], false, after);
        { SpliceAppend(head, rest, id, [], false, after); }
        Splice(head, id, [], false, after) + Splice(rest, id, [], false, after);
        { SpliceTwiceOne(body[0], id, before, after); SpliceTwice(body[1..], id, before, after); }
        Splice([body[0]], id, before, false, after) + Splice(body[1..], id, before, false, after);
        { SpliceCons(body, id, before, false, after); }
        Splice(body, id, before, false, after);
      }
    }
  }

  /** Statements the rewrite generates as text: none of them carries an id. */
  predicate NoSource(ss: seq<Stmt>) {
    forall i :: 0 <= i < |ss| ==> ss[i].Generated?
  }

  lemma ContainsIdAppend(a: seq<Stmt>, b: seq<Stmt>, x: StmtId)
    ensures ContainsId(a + b, x) <==> ContainsId(a, x) || ContainsId(b, x)
  {
    if ContainsId(a + b, x) {
      var i :| 0 <= i < |a + b| && HasId((a + b)[i], x);
      if i < |a| { assert a[i] == (a + b)[i]; } else { assert b[i - |a|] == (a + b)[i]; }
    }
    if ContainsId(a, x) {
      var i :| 0 <= i < |a| && HasId(a[i], x);
      assert (a + b)[i] == a[i];
    }
    if ContainsId(b, x) {
      var i :| 0 <= i < |b| && HasId(b[i], x);
      assert (a + b)[|a| + i] == b[i];
    }
  }

  /**
   * An edit that adds only generated statements keeps every statement of the
   * body except the one it edits, which stays only when `keep` holds.
   */
  lemma {:induction false} SpliceContains(body: seq<Stmt>, id: StmtId, before: seq<Stmt>, keep: bool, after: seq<Stmt>, x: StmtId)
    requires NoSource(before) && NoSource(after)
    ensures ContainsId(Splice(body, id, before, keep, after), x) <==> ContainsId(body, x) && (x != id || keep)
  {
    if body != [] {
      var head := if HasId(body[0], id) then before + (if keep then [body[0]] else []) + after else [body[0]];
      var rest := Splice(body[1..], id, before, keep, after);
      SpliceContains(body[1..], id, before, keep, after, x);
      ContainsIdAppend(head, rest, x);
      assert body == [body[0]] + body[1..];
      ContainsIdAppend([body[0]], body[1..], x);
      if HasId(body[0], id) {
        ContainsIdAppend(before + (if keep then [body[0]] else []), after, x);
        ContainsIdAppend(before, if keep then [body[0]] else [], x);
      }
    }
  }

  /** `addBefore(s, getLastBodyElement())`: `s` goes in front of the last statement. */
  function InsertBeforeLast(body: seq<Stmt>, s: Stmt): (r: seq<Stmt>)
    ensures |r| == |body| + 1
    ensures body != [] ==>
      r[|r| - 2] == s && r[|r| - 1] == body[|body| - 1] && r[..|r| - 2] == body[..|body| - 1]
    ensures body == [] ==> r == [s]
  {
    if body == [] then [s] else body[..|body| - 1] + [s, body[|body| - 1]]
  }

  /** `s.addAfter(child, s.getLastChild())`: `child` becomes the last thing inside `s`. */
  function Attach(s: Stmt, child: Stmt): (r: Stmt)
    ensures r.Source? == s.Source? && (r.Source? ==> r.id == s.id && r.exprs == s.exprs)
    ensures r.attached == s.attached + [child]
  {
    s.(attached := s.attached + [child])
  }

  /**
   * `statements[0].addAfter(child, statements[0].getLastChild())` in the
   * method whose body holds statement `id`: the child goes inside the
   * method's first statement.
   */
  function AttachToFirstIn(m: Member, id: StmtId, child: Stmt): Member {
    if m.MethodMember? && ContainsId(m.decl.body, id)
    then MethodMember(m.decl.(body := m.decl.body[0 := Attach(m.decl.body[0], child)]))
    else m
  }

  /** The statement edit applied inside every method of a member list. */
  function SpliceMember(m: Member, id: StmtId, before: seq<Stmt>, keep: bool, after: seq<Stmt>): Member {
    if m.MethodMember? then MethodMember(m.decl.(body := Splice(m.decl.body, id, before, keep, after))) else m
  }

  function SpliceMembers(ms: seq<Member>, id: StmtId, before: seq<Stmt>, keep: bool, after: seq<Stmt>): (r: seq<Member>)
    ensures |r| == |ms|
    ensures forall i :: 0 <= i < |ms| ==> r[i] == SpliceMember(ms[i], id, before, keep, after)
  {
    seq(|ms|, i requires 0 <= i < |ms| => SpliceMember(ms[i], id, before, keep, after))
  }

  function AttachToFirstInMembers(ms: seq<Member>, id: StmtId, child: Stmt): (r: seq<Member>)
    ensures |r| == |ms|
    ensures forall i :: 0 <= i < |ms| ==> r[i] == AttachToFirstIn(ms[i], id, child)
  {
    seq(|ms|, i requires 0 <= i < |ms| => AttachToFirstIn(ms[i], id, child))
  }

  /** Index of the first field member, if any. */
  function FirstFieldIndex(ms: seq<Member>): (r: Option<nat>)
    ensures r.None? <==> forall i :: 0 <= i < |ms| ==> !ms[i].FieldMember?
    ensures r.Some? ==> r.value < |ms| && ms[r.value].FieldMember?
                        && forall i :: 0 <= i < r.value ==> !ms[i].FieldMember?
  {
    FirstFieldFrom(ms, 0)
  }

  /** The scan behind `FirstFieldIndex`, from position `from` on. */
  function FirstFieldFrom(ms: seq<Member>, from: nat): (r: Option<nat>)
    requires from <= |ms|
    ensures r.None? <==> forall i :: from <= i < |ms| ==> !ms[i].FieldMember?
    ensures r.Some? ==> from <= r.value < |ms| && ms[r.value].FieldMember?
                        && forall i :: from <= i < r.value ==> !ms[i].FieldMember?
    decreases |ms| - from
  {
    if from == |ms| then None
    else if ms[from].FieldMember? then Some(from)
    else FirstFieldFrom(ms, from + 1)
  }

  /** Index of the first member that is the nested class `name`, if any. */
  function ClassIndex(ms: seq<Member>, name: string): (r: Option<nat>)
    ensures r.None? <==> ClassMember(name) !in ms
    ensures r.Some? ==> r.value < |ms| && ms[r.value] == ClassMember(name)
                        && forall i :: 0 <= i < r.value ==> ms[i] != ClassMember(name)
  {
    ClassIndexFrom(ms, name, 0)
  }

  /** The scan behind `ClassIndex`, from position `from` on. */
  function ClassIndexFrom(ms: seq<Member>, name: string, from: nat): (r: Option<nat>)
    requires from <= |ms|
    ensures r.None? <==> forall i :: from <= i < |ms| ==> ms[i] != ClassMember(name)
    ensures r.Some? ==> from <= r.value < |ms| && ms[r.value] == ClassMember(name)
                        && forall i :: from <= i < r.value ==> ms[i] != ClassMember(name)
    decreases |ms| - from
  {
    if from == |ms| then None
    else if ms[from] == ClassMember(name) then Some(from)
    else ClassIndexFrom(ms, name, from + 1)
  }

  /** Members placed in front of the nested class shift its index by their number. */
  lemma ClassIndexAfter(pre: seq<Member>, post: seq<Member>, name: string)
    requires ClassMember(name) !in pre
    requires post != [] && post[0] == ClassMember(name)
    ensures ClassIndex(pre + post, name) == Some(|pre|)
  {
    forall i | 0 <= i < |pre| ensures (pre + post)[i] != ClassMember(name) {
      assert (pre + post)[i] == pre[i];
    }
    ClassIndexFirst(pre + post, name, |pre|);
  }

  /** The index is that of the first member naming the class. */
  lemma ClassIndexFirst(ms: seq<Member>, name: string, j: nat)
    requires j < |ms| && ms[j] == ClassMember(name)
    requires forall i :: 0 <= i < j ==> ms[i] != ClassMember(name)
    ensures ClassIndex(ms, name) == Some(j)
  {
    assert ms[j] in ms;
  }

  /** What is in a list after an insertion at position `k`. */
  lemma InsertAtMembership<T>(s: seq<T>, k: nat, xs: seq<T>)
    requires k <= |s|
    ensures |s[..k] + xs + s[k..]| == |s| + |xs|
    ensures (s[..k] + xs + s[k..])[k..k + |xs|] == xs
    ensures forall m :: m in s[..k] + xs + s[k..] <==> m in s || m in xs
  {
    assert s == s[..k] + s[k..];
  }

  /** `delete()` of the nested class `name`: the member list without it. */
  function RemoveClass(ms: seq<Member>, name: string): (r: seq<Member>)
    ensures ClassMember(name) !in r
    ensures forall m :: m in r <==> m in ms && m != ClassMember(name)
    ensures MethodsOf(r) == MethodsOf(ms) && FieldsOf(r) == FieldsOf(ms)
  {
    if ms == [] then []
    else
      var head := if ms[0] == ClassMember(name) then [] else [ms[0]];
      var rest := RemoveClass(ms[1..], name);
      MethodsOfAppend(head, rest);
      FieldsOfAppend(head, rest);
      assert head == [] || head[1..] == [];
      head + rest
  }
}
